/** Order queues as doubly linked lists threaded through the orders. */
module OrderLinks {
  import Clob
  import opened ClobBook

  /** A price level: a side and a price. */
  type Level = (Clob.Side, nat)
  /** Head and tail of a level, or previous and next of an order; zero is none. */
  datatype Ends = Ends(first: nat, second: nat)

  datatype Links = Links(levels: map<Level, Ends>, nodes: map<nat, Ends>)

  function LevelAt(l: Links, k: Level): Ends {
    if k in l.levels then l.levels[k] else Ends(0, 0)
  }

  function NodeAt(l: Links, id: nat): Ends {
    if id in l.nodes then l.nodes[id] else Ends(0, 0)
  }

  function SetNode(l: Links, id: nat, e: Ends): Links {
    l.(nodes := l.nodes[id := e])
  }

  function SetLevel(l: Links, k: Level, e: Ends): Links {
    l.(levels := l.levels[k := e])
  }

  // ----- operations -----

  function Linked(l: Links, k: Level, id: nat): Links {
    var e := LevelAt(l, k);
    if e.second == 0 then SetLevel(SetNode(l, id, Ends(0, 0)), k, Ends(id, id))
    else
      var l1 := SetNode(l, e.second, Ends(NodeAt(l, e.second).first, id));
      SetLevel(SetNode(l1, id, Ends(e.second, 0)), k, Ends(e.first, id))
  }

  function Unlinked(l: Links, k: Level, id: nat): Links {
    var e, n := LevelAt(l, k), NodeAt(l, id);
    var l1 := if n.first != 0 then SetNode(l, n.first, Ends(NodeAt(l, n.first).first, n.second)) else l;
    var l2 := if n.second != 0 then SetNode(l1, n.second, Ends(n.first, NodeAt(l1, n.second).second)) else l1;
    var head, tail := if e.first == id then n.second else e.first, if e.second == id then n.first else e.second;
    SetLevel(SetNode(l2, id, Ends(0, 0)), k, if head == 0 then Ends(0, 0) else Ends(head, tail))
  }

  // ----- what they mean -----

  function Before(q: seq<nat>, i: nat): nat
    requires i < |q|
  {
    if i == 0 then 0 else q[i - 1]
  }

  function After(q: seq<nat>, i: nat): nat
    requires i < |q|
  {
    if i + 1 == |q| then 0 else q[i + 1]
  }

  ghost predicate Ordinary(q: seq<nat>) {
    (forall i :: 0 <= i < |q| ==> q[i] > 0) && (forall i, j :: 0 <= i < j < |q| ==> q[i] != q[j])
  }

  /** The links of level `k` spell out `q`. */
  ghost predicate Spells(l: Links, k: Level, q: seq<nat>) {
    && LevelAt(l, k) == EndsOf(q)
    && (forall i :: 0 <= i < |q| ==> NodeAt(l, q[i]) == Ends(Before(q, i), After(q, i)))
  }

  /** Appending at the tail. */
  lemma {:induction false} LinkedSpells(l: Links, k: Level, q: seq<nat>, id: nat)
    requires Spells(l, k, q) && Ordinary(q) && id > 0 && id !in q
    ensures Spells(Linked(l, k, id), k, q + [id]) && Ordinary(q + [id])
  {
    var m, r := Linked(l, k, id), q + [id];
    forall i | 0 <= i < |r|
      ensures NodeAt(m, r[i]) == Ends(Before(r, i), After(r, i))
    {
      if i + 1 < |q| { assert r[i] != q[|q| - 1] && r[i] != id; }
    }
  }

  lemma {:induction false} LinkedNode(l: Links, k: Level, q: seq<nat>, id: nat, x: nat)
    requires Spells(l, k, q) && x != id && x !in q
    ensures NodeAt(Linked(l, k, id), x) == NodeAt(l, x)
  {
    if q != [] { assert q[|q| - 1] in q; }
  }

  /** A level none of whose orders is touched keeps its links. */
  lemma {:induction false} LinkedElsewhere(l: Links, k: Level, q: seq<nat>, id: nat, j: Level, r: seq<nat>)
    requires Spells(l, k, q) && Spells(l, j, r) && j != k && id !in r
    requires forall x :: x in q ==> x !in r
    ensures Spells(Linked(l, k, id), j, r)
  {
    forall i | 0 <= i < |r|
      ensures NodeAt(Linked(l, k, id), r[i]) == NodeAt(l, r[i])
    {
      assert r[i] in r;
      LinkedNode(l, k, q, id, r[i]);
    }
  }

  /** Where the node of `x` points after the order at place `i` was taken out. */
  lemma {:induction false} UnlinkedNode(l: Links, k: Level, q: seq<nat>, i: nat, x: nat)
    requires Spells(l, k, q) && Ordinary(q) && i < |q| && x != q[i]
    ensures NodeAt(Unlinked(l, k, q[i]), x) ==
      if i > 0 && x == q[i - 1] then Ends(Before(q, i - 1), After(q, i))
      else if i + 1 < |q| && x == q[i + 1] then Ends(Before(q, i), After(q, i + 1))
      else NodeAt(l, x)
  {
    assert NodeAt(l, q[i]) == Ends(Before(q, i), After(q, i));
    if i > 0 { assert NodeAt(l, q[i - 1]) == Ends(Before(q, i - 1), q[i]); }
    if i + 1 < |q| { assert NodeAt(l, q[i + 1]) == Ends(q[i], After(q, i + 1)); }
    if 0 < i < |q| - 1 { assert q[i - 1] != q[i + 1]; }
    UnlinkedTouches(l, k, q[i], x);
  }

  /** Only the two neighbours are changed. */
  lemma {:induction false} UnlinkedTouches(l: Links, k: Level, id: nat, x: nat)
    requires x != id
    ensures var n := NodeAt(l, id);
      NodeAt(Unlinked(l, k, id), x) ==
        Ends(if x == n.second && x != 0 then n.first else NodeAt(l, x).first,
             if x == n.first && x != 0 then n.second else NodeAt(l, x).second)
  {
  }

  function EndsOf(q: seq<nat>): Ends {
    if q == [] then Ends(0, 0) else Ends(q[0], q[|q| - 1])
  }

  function EndsWithout(q: seq<nat>, i: nat): Ends
    requires i < |q|
  {
    if |q| == 1 then Ends(0, 0)
    else Ends(if i == 0 then q[1] else q[0], if i + 1 == |q| then q[i - 1] else q[|q| - 1])
  }

  lemma {:induction false} EndsOfSkip(q: seq<nat>, i: nat, r: seq<nat>)
    requires Skips(q, i, r)
    ensures EndsOf(r) == EndsWithout(q, i)
  {
  }

  lemma {:induction false} UnlinkedLevel(l: Links, k: Level, q: seq<nat>, i: nat)
    requires Spells(l, k, q) && Ordinary(q) && i < |q|
    ensures LevelAt(Unlinked(l, k, q[i]), k) == EndsWithout(q, i)
  {
    assert NodeAt(l, q[i]) == Ends(Before(q, i), After(q, i));
    assert i > 0 ==> q[0] != q[i];
    assert i + 1 < |q| ==> q[i] != q[|q| - 1];
  }

  /** Taking out the order at place `i`. */
  lemma {:induction false} UnlinkedSpells(l: Links, k: Level, q: seq<nat>, i: nat, r: seq<nat>)
    requires Spells(l, k, q) && Ordinary(q) && i < |q| && Skips(q, i, r)
    ensures Spells(Unlinked(l, k, q[i]), k, r)
  {
    UnlinkedLevel(l, k, q, i);
    EndsOfSkip(q, i, r);
    UnlinkedPlaces(l, k, q, i, r);
  }

  lemma {:induction false} UnlinkedPlaces(l: Links, k: Level, q: seq<nat>, i: nat, r: seq<nat>)
    requires Spells(l, k, q) && Ordinary(q) && i < |q| && Skips(q, i, r)
    ensures forall j :: 0 <= j < |r| ==> NodeAt(Unlinked(l, k, q[i]), r[j]) == Ends(Before(r, j), After(r, j))
  {
    forall j | 0 <= j < |r|
      ensures NodeAt(Unlinked(l, k, q[i]), r[j]) == Ends(Before(r, j), After(r, j))
    {
      if j < i { EarlierPlace(l, k, q, i, r, j); } else { LaterPlace(l, k, q, i, r, j); }
    }
  }

  lemma {:induction false} EarlierPlace(l: Links, k: Level, q: seq<nat>, i: nat, r: seq<nat>, j: nat)
    requires Spells(l, k, q) && Ordinary(q) && i < |q| && Skips(q, i, r) && j < i
    ensures NodeAt(Unlinked(l, k, q[i]), r[j]) == Ends(Before(r, j), After(r, j))
  {
    assert r[j] == q[j] && q[j] != q[i] && (i + 1 < |q| ==> q[j] != q[i + 1]);
    UnlinkedNode(l, k, q, i, q[j]);
    assert Before(r, j) == Before(q, j);
    if j + 1 < i {
      assert q[j] != q[i - 1] && After(r, j) == After(q, j);
    } else {
      assert After(r, j) == After(q, i);
    }
  }

  lemma {:induction false} LaterPlace(l: Links, k: Level, q: seq<nat>, i: nat, r: seq<nat>, j: nat)
    requires Spells(l, k, q) && Ordinary(q) && i < |q| && Skips(q, i, r) && i <= j < |r|
    ensures NodeAt(Unlinked(l, k, q[i]), r[j]) == Ends(Before(r, j), After(r, j))
  {
    assert r[j] == q[j + 1] && q[i] != q[j + 1] && (i > 0 ==> q[i - 1] != q[j + 1]);
    UnlinkedNode(l, k, q, i, q[j + 1]);
    assert After(r, j) == After(q, j + 1);
    if i < j {
      assert q[i + 1] != q[j + 1] && Before(r, j) == Before(q, j + 1);
    } else {
      assert Before(r, j) == Before(q, i);
    }
  }

  lemma {:induction false} UnlinkedElsewhere(l: Links, k: Level, q: seq<nat>, i: nat, j: Level, r: seq<nat>)
    requires Spells(l, k, q) && Ordinary(q) && i < |q| && Spells(l, j, r) && j != k
    requires forall x :: x in q ==> x !in r
    ensures Spells(Unlinked(l, k, q[i]), j, r)
  {
    forall n | 0 <= n < |r|
      ensures NodeAt(Unlinked(l, k, q[i]), r[n]) == NodeAt(l, r[n])
    {
      assert r[n] in r;
      assert q[i] in q && (i > 0 ==> q[i - 1] in q) && (i + 1 < |q| ==> q[i + 1] in q);
      UnlinkedNode(l, k, q, i, r[n]);
    }
  }
}
