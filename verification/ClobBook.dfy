/** What every operation keeps of the order book, and what the matcher's line means. */
module ClobBook {
  import opened Clob

  /** `id` rests on side `s` at price `p`. */
  predicate AtLevel(orders: map<nat, Order>, s: Side, p: nat, id: nat) {
    id in orders && orders[id].remaining > 0 && orders[id].side == s && orders[id].price == p
  }

  /** A level is never empty and lists orders of its own side and price by arrival. */
  ghost predicate QueueOk(orders: map<nat, Order>, s: Side, p: nat, q: seq<nat>) {
    && q != []
    && (forall i :: 0 <= i < |q| ==> AtLevel(orders, s, p, q[i]))
    && (forall i, j :: 0 <= i < j < |q| ==> orders[q[i]].sequence < orders[q[j]].sequence)
  }

  ghost predicate LevelsOk(orders: map<nat, Order>, s: Side, levels: map<nat, seq<nat>>) {
    forall p :: p in levels ==> QueueOk(orders, s, p, levels[p])
  }

  /** A stored order sits in the queue of its own side and price while it has a remainder. */
  ghost predicate OrderOk(b: Book, id: nat, o: Order) {
    && o.id == id && id < AtLeastOne(b.nextOrderId) && o.sequence < AtLeastOne(b.nextSequence)
    && (o.remaining > 0 ==>
          && o.orderType == Limit && (o.status == Open || o.status == PartiallyFilled)
          && o.price in Levels(b, o.side) && id in Levels(b, o.side)[o.price])
  }

  ghost predicate OrdersOk(b: Book) {
    forall id :: id in b.orders ==> OrderOk(b, id, b.orders[id])
  }

  /** Best bid below best ask. */
  ghost predicate Uncrossed(b: Book) {
    forall p, q :: p in b.bids && q in b.asks ==> p < q
  }

  ghost predicate BookInv(b: Book) {
    && LevelsOk(b.orders, Buy, b.bids) && LevelsOk(b.orders, Sell, b.asks)
    && OrdersOk(b) && Uncrossed(b)
  }

  // ----- queues -----

  lemma {:induction false} WithoutHead(q: seq<nat>, id: nat)
    requires q != [] && q[0] == id
    ensures Without(q, id) == q[1..]
  {
  }

  /** `w` is `q` without its `k`-th entry. */
  ghost predicate Skips(q: seq<nat>, k: nat, w: seq<nat>) {
    && k < |q| == |w| + 1
    && (forall i :: 0 <= i < k ==> w[i] == q[i])
    && (forall i :: k <= i < |w| ==> w[i] == q[i + 1])
  }

  lemma {:induction false} WithoutSkips(q: seq<nat>, id: nat, k: nat)
    requires k < |q| && q[k] == id && (forall i :: 0 <= i < k ==> q[i] != id)
    ensures Skips(q, k, Without(q, id))
    decreases k
  {
    if k > 0 {
      WithoutSkips(q[1..], id, k - 1);
    }
  }

  lemma {:induction false} QueueSkips(orders: map<nat, Order>, s: Side, p: nat, q: seq<nat>, k: nat, w: seq<nat>)
    requires QueueOk(orders, s, p, q) && Skips(q, k, w) && w != []
    ensures QueueOk(orders, s, p, w)
  {
  }

  lemma {:induction false} SkipsMembers(q: seq<nat>, k: nat, w: seq<nat>)
    requires Skips(q, k, w) && (forall i :: 0 <= i < |q| && i != k ==> q[i] != q[k])
    ensures forall x :: x in w <==> x in q && x != q[k]
  {
    forall x | x in q && x != q[k]
      ensures x in w
    {
      var i :| 0 <= i < |q| && q[i] == x;
      assert w[if i < k then i else i - 1] == x;
    }
  }

  lemma {:induction false} QueueDistinct(orders: map<nat, Order>, s: Side, p: nat, q: seq<nat>, k: nat)
    requires QueueOk(orders, s, p, q) && k < |q|
    ensures forall i :: 0 <= i < |q| && i != k ==> q[i] != q[k]
  {
    assert forall i :: 0 <= i < k ==> orders[q[i]].sequence < orders[q[k]].sequence;
    assert forall i :: k < i < |q| ==> orders[q[k]].sequence < orders[q[i]].sequence;
  }

  lemma {:induction false} QueueWithout(orders: map<nat, Order>, s: Side, p: nat, q: seq<nat>, id: nat)
    requires QueueOk(orders, s, p, q) && id in q
    ensures Without(q, id) != [] ==> QueueOk(orders, s, p, Without(q, id))
    ensures forall x :: x in Without(q, id) <==> x in q && x != id
  {
    var k :| 0 <= k < |q| && q[k] == id;
    QueueDistinct(orders, s, p, q, k);
    WithoutSkips(q, id, k);
    var w := Without(q, id);
    SkipsMembers(q, k, w);
    if w != [] { QueueSkips(orders, s, p, q, k, w); }
  }

  /** A level that loses one order keeps the others, in order. */
  lemma {:induction false} DequeuedOk(orders: map<nat, Order>, s: Side, levels: map<nat, seq<nat>>, price: nat, id: nat)
    requires LevelsOk(orders, s, levels) && price in levels && id in levels[price]
    ensures LevelsOk(orders, s, Dequeued(levels, price, id))
    ensures Dequeued(levels, price, id).Keys <= levels.Keys
    ensures forall p :: p in Dequeued(levels, price, id) ==> id !in Dequeued(levels, price, id)[p]
    ensures forall p, x :: p in levels && x in levels[p] && x != id
              ==> p in Dequeued(levels, price, id) && x in Dequeued(levels, price, id)[p]
  {
    assert QueueOk(orders, s, price, levels[price]);
    QueueWithout(orders, s, price, levels[price], id);
    forall p | p in levels && p != price
      ensures id !in levels[p]
    {
      assert QueueOk(orders, s, p, levels[p]);
    }
  }

  /** Changing an order that is in no queue leaves the queues in order. */
  lemma {:induction false} LevelsOkFrame(orders: map<nat, Order>, s: Side, levels: map<nat, seq<nat>>, id: nat,
                                         o: Order)
    requires LevelsOk(orders, s, levels)
    requires forall p :: p in levels ==> id !in levels[p]
    ensures LevelsOk(orders[id := o], s, levels)
  {
    forall p | p in levels
      ensures QueueOk(orders[id := o], s, p, levels[p])
    {
      assert QueueOk(orders, s, p, levels[p]);
    }
  }

  /** A resting order that only loses quantity, but not all, stays where it is. */
  lemma {:induction false} LevelsOkReduced(orders: map<nat, Order>, s: Side, levels: map<nat, seq<nat>>, id: nat,
                                           o: Order)
    requires LevelsOk(orders, s, levels) && id in orders
    requires o.remaining > 0 && o.side == orders[id].side && o.price == orders[id].price
    requires o.sequence == orders[id].sequence
    ensures LevelsOk(orders[id := o], s, levels)
  {
    forall p | p in levels
      ensures QueueOk(orders[id := o], s, p, levels[p])
    {
      assert QueueOk(orders, s, p, levels[p]);
    }
  }

  /** An order stands in a queue exactly when it has a remainder and the queue is the one of
      its own side and price. */
  lemma {:induction false} QueuedIffResting(b: Book, id: nat, s: Side, p: nat)
    requires BookInv(b)
    ensures (p in Levels(b, s) && id in Levels(b, s)[p]) <==> AtLevel(b.orders, s, p, id)
  {
    if p in Levels(b, s) { assert QueueOk(b.orders, s, p, Levels(b, s)[p]); }
    if id in b.orders { assert OrderOk(b, id, b.orders[id]); }
  }

  // ----- the line of makers -----

  /** `x` comes before `y` for whoever trades against side `s`: better price, then arrival. */
  predicate Ahead(s: Side, x: Order, y: Order) {
    (NoWorse(s, x.price, y.price) && x.price != y.price) || (x.price == y.price && x.sequence < y.sequence)
  }

  /** `line` lists exactly the orders resting on side `s`, in price then arrival order. */
  ghost predicate PriorityLine(b: Book, s: Side, line: seq<nat>) {
    && (forall i :: 0 <= i < |line| ==>
          line[i] in b.orders && b.orders[line[i]].remaining > 0 && b.orders[line[i]].side == s)
    && (forall i, j :: 0 <= i < j < |line| ==> Ahead(s, b.orders[line[i]], b.orders[line[j]]))
    && (forall id :: id in b.orders && b.orders[id].remaining > 0 && b.orders[id].side == s ==> id in line)
  }

  ghost predicate LadderOk(orders: map<nat, Order>, s: Side, levels: map<nat, seq<nat>>, line: seq<nat>) {
    && (forall i :: 0 <= i < |line| ==>
          line[i] in orders && orders[line[i]].remaining > 0 && orders[line[i]].side == s
          && orders[line[i]].price in levels && line[i] in levels[orders[line[i]].price])
    && (forall i, j :: 0 <= i < j < |line| ==> Ahead(s, orders[line[i]], orders[line[j]]))
    && (forall p, id :: p in levels && id in levels[p] ==> id in line)
  }

  lemma {:induction false} LadderIsOk(orders: map<nat, Order>, s: Side, levels: map<nat, seq<nat>>)
    requires LevelsOk(orders, s, levels)
    ensures LadderOk(orders, s, levels, Ladder(s, levels))
    decreases levels.Keys
  {
    if levels != map[] {
      var p := Best(s, levels.Keys);
      var q, rest := levels[p], Ladder(s, levels - {p});
      LadderIsOk(orders, s, levels - {p});
      assert QueueOk(orders, s, p, q);
      var line := q + rest;
      forall i, j | 0 <= i < j < |line|
        ensures Ahead(s, orders[line[i]], orders[line[j]])
      {
        if j < |q| {
          assert line[i] == q[i] && line[j] == q[j];
        } else if i >= |q| {
          assert line[i] == rest[i - |q|] && line[j] == rest[j - |q|];
        } else {
          assert line[i] == q[i] && line[j] == rest[j - |q|];
          var pj := orders[line[j]].price;
          assert pj in levels.Keys && pj != p;
        }
      }
      forall r, id | r in levels && id in levels[r]
        ensures id in line
      {
        if r != p { assert r in levels - {p} && (levels - {p})[r] == levels[r]; }
      }
    }
  }

  /** Level by level, queue by queue, is price then arrival over all resting orders. */
  lemma {:induction false} LadderIsPriorityLine(b: Book, s: Side)
    requires BookInv(b)
    ensures PriorityLine(b, s, Ladder(s, Levels(b, s)))
  {
    LadderIsOk(b.orders, s, Levels(b, s));
    forall id | id in b.orders && b.orders[id].remaining > 0 && b.orders[id].side == s
      ensures id in Ladder(s, Levels(b, s))
    {
      assert OrderOk(b, id, b.orders[id]);
    }
  }

  /** The priority line is unique. */
  lemma {:induction false} PriorityLineUnique(b: Book, s: Side, x: seq<nat>, y: seq<nat>, k: nat)
    requires PriorityLine(b, s, x) && PriorityLine(b, s, y) && k <= |x| && x[..k] <= y
    ensures x == y
    decreases |x| - k
  {
    assert x[..k] == y[..k];
    if k == |x| {
      if |x| < |y| { PrefixMisses(b, s, x, y); }
    } else {
      NextInLine(b, s, x, y, k);
      assert x[..k + 1] == x[..k] + [x[k]];
      PriorityLineUnique(b, s, x, y, k + 1);
    }
  }

  lemma {:induction false} LineDistinct(b: Book, s: Side, y: seq<nat>)
    requires PriorityLine(b, s, y)
    ensures forall i, j :: 0 <= i < j < |y| ==> y[i] != y[j]
  {
    forall i, j | 0 <= i < j < |y|
      ensures y[i] != y[j]
    {
      assert Ahead(s, b.orders[y[i]], b.orders[y[j]]);
    }
  }

  lemma {:induction false} PrefixMisses(b: Book, s: Side, x: seq<nat>, y: seq<nat>)
    requires PriorityLine(b, s, y) && x < y
    ensures !PriorityLine(b, s, x)
  {
    LineDistinct(b, s, y);
    assert y[|x|] !in x;
  }

  lemma {:induction false} NextInLine(b: Book, s: Side, x: seq<nat>, y: seq<nat>, k: nat)
    requires PriorityLine(b, s, x) && PriorityLine(b, s, y) && k < |x| && x[..k] <= y
    ensures k < |y| && y[k] == x[k]
  {
    assert x[..k] == y[..k];
    assert x[k] in y;
    var j :| 0 <= j < |y| && y[j] == x[k];
    assert j >= k;
    assert y[k] in x;
    var i :| 0 <= i < |x| && x[i] == y[k];
    assert i >= k;
  }
}
