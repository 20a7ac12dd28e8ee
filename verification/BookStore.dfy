/** The order queues and price ladders as they are stored, and the levels they stand for. */
module BookStores {
  import opened Basics
  import Clob
  import opened ClobBook
  import opened OrderLinks
  import opened PriceLadders

  datatype Queues = Queues(bids: map<nat, seq<nat>>, asks: map<nat, seq<nat>>)

  function LevelsOf(qs: Queues, s: Clob.Side): map<nat, seq<nat>> {
    if s == Clob.Buy then qs.bids else qs.asks
  }

  function WithLevels(qs: Queues, s: Clob.Side, levels: map<nat, seq<nat>>): Queues {
    if s == Clob.Buy then qs.(bids := levels) else qs.(asks := levels)
  }

  function QueueAt(qs: Queues, k: Level): seq<nat> {
    if k.1 in LevelsOf(qs, k.0) then LevelsOf(qs, k.0)[k.1] else []
  }

  ghost predicate SpelledAt(l: Links, qs: Queues, k: Level) {
    Spells(l, k, QueueAt(qs, k)) && Ordinary(QueueAt(qs, k))
  }

  ghost predicate OneQueue(qs: Queues) {
    forall j: Level, k: Level, x :: x in QueueAt(qs, j) && x in QueueAt(qs, k) ==> j == k
  }

  /** The links of every level spell out its queue, and no order is in two queues. */
  ghost predicate Represents(l: Links, qs: Queues) {
    (forall k: Level :: SpelledAt(l, qs, k)) && OneQueue(qs)
  }

  ghost predicate NoneEmpty(levels: map<nat, seq<nat>>) {
    forall p :: p in levels ==> levels[p] != []
  }

  function Enqueued(qs: Queues, k: Level, id: nat): Queues {
    WithLevels(qs, k.0, Clob.Enqueued(LevelsOf(qs, k.0), k.1, id))
  }

  function Dequeued(qs: Queues, k: Level, id: nat): Queues {
    WithLevels(qs, k.0, Clob.Dequeued(LevelsOf(qs, k.0), k.1, id))
  }

  lemma {:induction false} EnqueuedAt(qs: Queues, k: Level, id: nat, j: Level)
    ensures QueueAt(Enqueued(qs, k, id), j) == if j == k then QueueAt(qs, k) + [id] else QueueAt(qs, j)
  {
  }

  lemma {:induction false} DequeuedAt(qs: Queues, k: Level, id: nat, j: Level)
    ensures QueueAt(Dequeued(qs, k, id), j) == if j == k then Clob.Without(QueueAt(qs, k), id) else QueueAt(qs, j)
  {
  }

  /** Queues that only take in a new order, or only lose some, still share none. */
  lemma {:induction false} StillOneQueue(qs: Queues, next: Queues, k: Level, id: nat)
    requires OneQueue(qs) && forall j: Level :: id in QueueAt(qs, j) ==> j == k
    requires forall j: Level, x :: x in QueueAt(next, j) ==> x in QueueAt(qs, j) || (j == k && x == id)
    ensures OneQueue(next)
  {
  }

  lemma {:induction false} LinkedAt(l: Links, qs: Queues, k: Level, id: nat, j: Level)
    requires Represents(l, qs) && id > 0 && forall i: Level :: id !in QueueAt(qs, i)
    ensures SpelledAt(Linked(l, k, id), Enqueued(qs, k, id), j)
  {
    EnqueuedAt(qs, k, id, j);
    assert SpelledAt(l, qs, k) && SpelledAt(l, qs, j);
    if j == k {
      LinkedSpells(l, k, QueueAt(qs, k), id);
    } else {
      LinkedElsewhere(l, k, QueueAt(qs, k), id, j, QueueAt(qs, j));
    }
  }

  lemma {:induction false} LinkedRepresents(l: Links, qs: Queues, k: Level, id: nat)
    requires Represents(l, qs) && id > 0 && forall i: Level :: id !in QueueAt(qs, i)
    ensures Represents(Linked(l, k, id), Enqueued(qs, k, id))
  {
    forall j: Level
      ensures SpelledAt(Linked(l, k, id), Enqueued(qs, k, id), j)
    {
      LinkedAt(l, qs, k, id, j);
    }
    forall j: Level, x | x in QueueAt(Enqueued(qs, k, id), j)
      ensures x in QueueAt(qs, j) || (j == k && x == id)
    {
      EnqueuedAt(qs, k, id, j);
    }
    StillOneQueue(qs, Enqueued(qs, k, id), k, id);
  }

  lemma {:induction false} UnlinkedAt(l: Links, qs: Queues, k: Level, id: nat, j: Level)
    requires Represents(l, qs) && id in QueueAt(qs, k)
    ensures SpelledAt(Unlinked(l, k, id), Dequeued(qs, k, id), j)
    ensures forall x :: x in QueueAt(Dequeued(qs, k, id), j) ==> x in QueueAt(qs, j)
  {
    DequeuedAt(qs, k, id, j);
    var q := QueueAt(qs, k);
    assert SpelledAt(l, qs, k) && SpelledAt(l, qs, j);
    var i :| 0 <= i < |q| && q[i] == id;
    assert forall n :: 0 <= n < i ==> q[n] != q[i];
    if j == k {
      WithoutSkips(q, id, i);
      UnlinkedSpells(l, k, q, i, Clob.Without(q, id));
      SkipsOrdinary(q, i, Clob.Without(q, id));
    } else {
      UnlinkedElsewhere(l, k, q, i, j, QueueAt(qs, j));
    }
  }

  lemma {:induction false} UnlinkedRepresents(l: Links, qs: Queues, k: Level, id: nat)
    requires Represents(l, qs) && id in QueueAt(qs, k)
    ensures Represents(Unlinked(l, k, id), Dequeued(qs, k, id))
  {
    forall j: Level
      ensures SpelledAt(Unlinked(l, k, id), Dequeued(qs, k, id), j)
      ensures forall x :: x in QueueAt(Dequeued(qs, k, id), j) ==> x in QueueAt(qs, j)
    {
      UnlinkedAt(l, qs, k, id, j);
    }
    StillOneQueue(qs, Dequeued(qs, k, id), k, id);
  }

  lemma {:induction false} SkipsOrdinary(q: seq<nat>, i: nat, r: seq<nat>)
    requires Ordinary(q) && Skips(q, i, r)
    ensures Ordinary(r) && forall x :: x in r ==> x in q
  {
  }

  /** The links and the ladders' trees stand for the queues. */
  ghost predicate Stores(l: Links, qs: Queues, trees: Trees) {
    && Represents(l, qs) && NoneEmpty(qs.bids) && NoneEmpty(qs.asks)
    && Prices(trees, Clob.Buy) == qs.bids.Keys && Prices(trees, Clob.Sell) == qs.asks.Keys
  }

  class BookStore {
    var links: Links
    const ladder: PriceLadder
    ghost var queues: Queues

    ghost predicate Valid()
      reads this, ladder
    {
      Stores(links, queues, ladder.trees) && ladder.Valid()
    }

    constructor ()
      ensures Valid() && fresh(ladder) && queues == Queues(map[], map[])
    {
      links := Links(map[], map[]);
      ladder := new PriceLadder();
      queues := Queues(map[], map[]);
    }

    /** Highest bid or lowest ask. */
    method BestPrice(s: Clob.Side) returns (r: Option<nat>)
      requires Valid()
      ensures r == if LevelsOf(queues, s) == map[] then None else Some(Clob.Best(s, LevelsOf(queues, s).Keys))
    {
      r := ladder.Extreme(s, if s == Clob.Buy then 1 else 0);
      assert LevelsOf(queues, s).Keys == Prices(ladder.trees, s);
    }

    method FrontOrderAt(s: Clob.Side, price: nat) returns (r: Option<nat>)
      requires Valid()
      ensures r == if price in LevelsOf(queues, s) then Some(LevelsOf(queues, s)[price][0]) else None
    {
      var head := LevelAt(links, (s, price)).first;
      assert SpelledAt(links, queues, (s, price));
      return if head != 0 then Some(head) else None;
    }

    /** Hang an order on the tail of its level; says whether the level was empty. */
    method LinkLast(k: Level, id: nat) returns (wasEmpty: bool)
      modifies `links
      ensures links == Linked(old(links), k, id) && wasEmpty == (LevelAt(old(links), k).second == 0)
    {
      var e := LevelAt(links, k);
      wasEmpty := e.second == 0;
      if wasEmpty {
        links := SetNode(links, id, Ends(0, 0));
        links := SetLevel(links, k, Ends(id, id));
      } else {
        links := SetNode(links, e.second, Ends(NodeAt(links, e.second).first, id));
        links := SetNode(links, id, Ends(e.second, 0));
        links := SetLevel(links, k, Ends(e.first, id));
      }
    }

    /** Join an order's neighbours; says whether the level is now empty. */
    method Unlink(k: Level, id: nat) returns (nowEmpty: bool)
      modifies `links
      ensures links == Unlinked(old(links), k, id) && nowEmpty == (LevelAt(links, k).first == 0)
    {
      var e, n := LevelAt(links, k), NodeAt(links, id);
      if n.first != 0 {
        links := SetNode(links, n.first, Ends(NodeAt(links, n.first).first, n.second));
      }
      if n.second != 0 {
        links := SetNode(links, n.second, Ends(n.first, NodeAt(links, n.second).second));
      }
      var head := if e.first == id then n.second else e.first;
      var tail := if e.second == id then n.first else e.second;
      links := SetNode(links, id, Ends(0, 0));
      nowEmpty := head == 0;
      links := SetLevel(links, k, if nowEmpty then Ends(0, 0) else Ends(head, tail));
    }

    /** Put the store back to what it was at a snapshot. */
    method Restore(links: Links, arena: Arena, ghost queues: Queues, ghost trees: Trees, ghost free: seq<nat>)
      requires Stores(links, queues, trees) && ArenaOk(arena, trees, free)
      modifies this, ladder
      ensures Valid() && this.queues == queues
    {
      this.links, this.queues := links, queues;
      ladder.arena, ladder.trees, ladder.free := arena, trees, free;
    }

    method Enqueue(s: Clob.Side, price: nat, id: nat)
      requires Valid() && price <= U64_MAX && id > 0 && forall k: Level :: id !in QueueAt(queues, k)
      modifies this, ladder
      ensures Valid() && LevelsOf(queues, s) == Clob.Enqueued(old(LevelsOf(queues, s)), price, id)
      ensures LevelsOf(queues, Clob.Opposite(s)) == old(LevelsOf(queues, Clob.Opposite(s)))
    {
      LinkedRepresents(links, queues, (s, price), id);
      assert SpelledAt(links, queues, (s, price));
      ghost var next := Enqueued(queues, (s, price), id);
      var wasEmpty := LinkLast((s, price), id);
      if wasEmpty {
        ladder.Insert(s, price);
      }
      queues := next;
    }

    method RemoveOrder(s: Clob.Side, price: nat, id: nat)
      requires Valid() && price in LevelsOf(queues, s) && id in LevelsOf(queues, s)[price]
      modifies this, ladder
      ensures Valid() && LevelsOf(queues, s) == Clob.Dequeued(old(LevelsOf(queues, s)), price, id)
      ensures LevelsOf(queues, Clob.Opposite(s)) == old(LevelsOf(queues, Clob.Opposite(s)))
    {
      UnlinkedRepresents(links, queues, (s, price), id);
      ghost var next := Dequeued(queues, (s, price), id);
      var nowEmpty := Unlink((s, price), id);
      assert SpelledAt(links, next, (s, price));
      if nowEmpty {
        ladder.Remove(s, price);
      }
      queues := next;
    }
  }
}
