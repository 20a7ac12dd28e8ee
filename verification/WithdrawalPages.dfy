/** Listing the open withdrawals, whole or page by page. */
module WithdrawalPages {
  import opened Basics
  import opened Bridges
  import opened BridgeRuns

  /** The identifiers are listed once each, and exactly those of the stored records. */
  ghost predicate IndexOk(b: Bridge) {
    && (forall i, j :: 0 <= i < j < |b.index| ==> b.index[i] != b.index[j])
    && (forall id :: id in b.records <==> id in b.index)
    && (forall id :: id in b.records ==> b.records[id].id == id)
  }

  lemma {:induction false} IndexRecordOk(b: Bridge, r: Record)
    requires IndexOk(b)
    ensures IndexOk(IndexRecord(b, r))
  {
  }

  lemma {:induction false} SameIndex(b: Bridge, a: Bridge)
    requires IndexOk(b) && a.index == b.index && a.records.Keys == b.records.Keys
    requires forall id :: id in a.records ==> a.records[id].id == id
    ensures IndexOk(a)
  {
    assert forall id :: id in a.records <==> id in a.records.Keys;
    assert forall id :: id in b.records <==> id in b.records.Keys;
  }

  lemma {:induction false} RecordIndexed(b: Bridge, a: Bridge, r: Record)
    requires IndexOk(b) && a.records == IndexRecord(b, r).records && a.index == IndexRecord(b, r).index
    ensures IndexOk(a)
  {
    IndexRecordOk(b, r);
    SameIndex(IndexRecord(b, r), a);
  }

  lemma {:induction false} CompleteIndex(b: Bridge, c: Completion, verified: bool, a: Bridge)
    requires IndexOk(b) && CompleteWithdrawal(b, c, verified) == Ok(a)
    ensures IndexOk(a)
  {
    assert a.index == b.index && a.records == b.records[c.id := b.records[c.id].(completed := true)];
    SameIndex(b, a);
  }

  lemma {:induction false} DepositIndex(b: Bridge, d: Deposit, slot: nat, verified: bool, allowed: bool, a: Bridge)
    requires IndexOk(b) && ProcessDeposit(b, d, slot, verified, allowed) == Ok(a)
    ensures IndexOk(a)
  {
    var c, n := DepositParts(b, d, slot, verified, allowed, a);
    CreditedIndex(b, d, c, b.canonicals[c].mint, n, slot, a);
    SameIndex(b, a);
  }

  lemma {:induction false} RequestIndex(b: Bridge, q: Request, slot: nat, allowed: bool, destOk: bool, a: Bridge)
    requires IndexOk(b) && RequestWithdrawal(b, q, slot, allowed, destOk) == Ok(a)
    ensures IndexOk(a)
  {
    var external := RequestParts(b, q, slot, allowed, destOk, a);
    DebitedIndex(b, q, b.canonicals[q.canonical].mint, external, slot, a);
    RecordIndexed(b, a, Record(q.id, q.asset, external, q.sender, q.dest, slot, false));
  }

  /** Every run keeps the list so. */
  lemma {:induction false} ApplyIndexOk(b: Bridge, op: Op)
    requires IndexOk(b)
    ensures IndexOk(Apply(b, op))
  {
    if Try(b, op).Ok? {
      var a := Try(b, op).value;
      match op
      case DepositOp(d, slot, verified, allowed) => DepositIndex(b, d, slot, verified, allowed, a);
      case RequestOp(q, slot, allowed, destOk) => RequestIndex(b, q, slot, allowed, destOk, a);
      case WrappedOp(r, mint, destOk) => RecordIndexed(b, a, r.(completed := false));
      case CompleteOp(c, verified) => CompleteIndex(b, c, verified, a);
      case _ => SameIndex(b, a);
    }
  }

  lemma {:induction false} CreditedIndex(b: Bridge, d: Deposit, c: CanonicalId, mint: AccountId, n: nat, slot: nat,
                                         a: Bridge)
    requires Credited(b, d, c, mint, n, slot) == Ok(a)
    ensures a.records == b.records && a.index == b.index
  {
  }

  lemma {:induction false} DebitedIndex(b: Bridge, q: Request, mint: AccountId, external: nat, slot: nat, a: Bridge)
    requires Debited(b, q, mint, external, slot) == Ok(a)
    ensures var c := IndexRecord(b, Record(q.id, q.asset, external, q.sender, q.dest, slot, false));
      a.records == c.records && a.index == c.index
  {
  }

  lemma {:induction false} RunIndexOk(b: Bridge, ops: seq<Op>)
    requires IndexOk(b)
    ensures IndexOk(Run(b, ops))
    decreases |ops|
  {
    if ops != [] {
      ApplyIndexOk(b, ops[0]);
      RunIndexOk(Apply(b, ops[0]), ops[1..]);
    }
  }

  // ----- what is listed -----

  /** The open record listed at place `i`, if any. */
  function OpenAt(b: Bridge, i: nat): seq<Record>
    requires i < |b.index|
  {
    if b.index[i] in b.records && !b.records[b.index[i]].completed then [b.records[b.index[i]]] else []
  }

  /** The open records between two places of the list. */
  function Open(b: Bridge, lo: nat, hi: nat): seq<Record>
    requires lo <= hi <= |b.index|
    decreases hi - lo
  {
    if lo == hi then [] else Open(b, lo, hi - 1) + OpenAt(b, hi - 1)
  }

  lemma {:induction false} OpenSplit(b: Bridge, lo: nat, mid: nat, hi: nat)
    requires lo <= mid <= hi <= |b.index|
    ensures Open(b, lo, hi) == Open(b, lo, mid) + Open(b, mid, hi)
    decreases hi - mid
  {
    if mid < hi {
      OpenSplit(b, lo, mid, hi - 1);
    } else {
      assert Open(b, lo, hi) == Open(b, lo, mid) + [];
    }
  }

  /** What is listed is what is open. */
  lemma {:induction false} OpenListed(b: Bridge, hi: nat, r: Record)
    requires IndexOk(b) && hi <= |b.index|
    ensures r in Open(b, 0, hi) <==> IsOpen(b, r) && r.id in b.index[..hi]
    decreases hi
  {
    if hi > 0 {
      OpenListed(b, hi - 1, r);
      assert b.index[..hi] == b.index[..hi - 1] + [b.index[hi - 1]];
    }
  }

  /** No withdrawal is listed twice. */
  lemma {:induction false} OpenDistinct(b: Bridge, hi: nat)
    requires IndexOk(b) && hi <= |b.index|
    ensures Distinct(Open(b, 0, hi))
    decreases hi
  {
    if hi > 0 {
      OpenDistinct(b, hi - 1);
      var before: seq<Record>, id := Open(b, 0, hi - 1), b.index[hi - 1];
      forall i | 0 <= i < |before|
        ensures before[i].id != id
      {
        OpenListed(b, hi - 1, before[i]);
      }
    }
  }

  predicate IsOpen(b: Bridge, r: Record) {
    r.id in b.records && b.records[r.id] == r && !r.completed
  }

  // ----- pages -----

  function Clamp(limit: nat): (n: nat)
    ensures 1 <= n <= 1000
  {
    if limit < 1 then 1 else if limit > 1000 then 1000 else limit
  }

  /** Where a page that starts at `lo` and already holds `got` records ends. */
  function PageEnd(b: Bridge, lo: nat, got: nat, limit: nat): (hi: nat)
    requires lo <= |b.index|
    ensures lo <= hi <= |b.index|
    decreases |b.index| - lo
  {
    if lo == |b.index| || got >= limit then lo
    else PageEnd(b, lo + 1, got + |OpenAt(b, lo)|, limit)
  }

  datatype Page = Page(withdrawals: seq<Record>, next: nat, total: nat)

  function PageAt(b: Bridge, start: nat, limit: nat): Page {
    var lo := if start <= |b.index| then start else |b.index|;
    var hi := PageEnd(b, lo, 0, Clamp(limit));
    Page(Open(b, lo, hi), hi, |b.index|)
  }

  lemma {:induction false} PageHolds(b: Bridge, lo: nat, got: nat, limit: nat)
    requires lo <= |b.index| && got <= limit
    ensures got + |Open(b, lo, PageEnd(b, lo, got, limit))| <= limit
    ensures PageEnd(b, lo, got, limit) < |b.index| ==> got + |Open(b, lo, PageEnd(b, lo, got, limit))| == limit
    decreases |b.index| - lo
  {
    if lo < |b.index| && got < limit {
      var more := got + |OpenAt(b, lo)|;
      assert more <= limit && PageEnd(b, lo, got, limit) == PageEnd(b, lo + 1, more, limit);
      PageHolds(b, lo + 1, more, limit);
      OpenFirst(b, lo, PageEnd(b, lo + 1, more, limit));
    } else {
      assert PageEnd(b, lo, got, limit) == lo && Open(b, lo, lo) == [];
    }
  }

  lemma {:induction false} OpenFirst(b: Bridge, lo: nat, hi: nat)
    requires lo < hi <= |b.index|
    ensures Open(b, lo, hi) == OpenAt(b, lo) + Open(b, lo + 1, hi)
    ensures |Open(b, lo, hi)| == |OpenAt(b, lo)| + |Open(b, lo + 1, hi)|
  {
    OpenSplit(b, lo, lo + 1, hi);
    OpenOne(b, lo);
  }

  lemma {:induction false} OpenOne(b: Bridge, lo: nat)
    requires lo < |b.index|
    ensures Open(b, lo, lo + 1) == OpenAt(b, lo)
  {
    assert Open(b, lo, lo) == [];
  }

  /** All pages from `start` on, each asked for from where the last one ended. */
  function Paged(b: Bridge, start: nat, limit: nat): seq<Record>
    requires start <= |b.index|
    decreases |b.index| - start
  {
    if start == |b.index| then []
    else
      var page := PageAt(b, start, limit);
      page.withdrawals + Paged(b, page.next, limit)
  }

  /** Paging gets to the end and gives every open withdrawal, in the order of the list. */
  lemma {:induction false} PagedIsOpen(b: Bridge, start: nat, limit: nat)
    requires start <= |b.index|
    ensures Paged(b, start, limit) == Open(b, start, |b.index|)
    decreases |b.index| - start
  {
    if start < |b.index| {
      var next := PageAt(b, start, limit).next;
      PagedIsOpen(b, next, limit);
      OpenSplit(b, start, next, |b.index|);
    }
  }

  /** A page holds as many as asked for, from one to a thousand, unless it is the last; it names the
      length of the whole list. */
  lemma {:induction false} PageSize(b: Bridge, start: nat, limit: nat)
    ensures var n := if limit == 0 then 1 else if limit <= 1000 then limit else 1000;
      var page := PageAt(b, start, limit);
      && |page.withdrawals| <= n && (page.next < |b.index| ==> |page.withdrawals| == n)
      && page.total == |b.index| && (start >= |b.index| ==> page.withdrawals == [] && page.next == |b.index|)
  {
    PageHolds(b, if start <= |b.index| then start else |b.index|, 0, Clamp(limit));
  }

  /** A page that is not full goes on with the next place. */
  lemma {:induction false} PageStep(b: Bridge, lo: nat, i: nat, out: seq<Record>, limit: nat)
    requires lo <= i < |b.index| && out == Open(b, lo, i) && |out| < limit
    ensures OpenAt(b, i) == [] ==> out == Open(b, lo, i + 1)
    ensures out + OpenAt(b, i) == Open(b, lo, i + 1)
    ensures PageEnd(b, i, |out|, limit) == PageEnd(b, i + 1, |out + OpenAt(b, i)|, limit)
  {
    assert out + [] == out;
  }

  /** One page, place by place. */
  method ListPendingPage(b: Bridge, start: nat, limit: nat) returns (page: Page)
    ensures page == PageAt(b, start, limit)
  {
    var count := |b.index|;
    var most := Clamp(limit);
    var first := if start <= count then start else count;
    var out: seq<Record>, i := [], first;
    ghost var end := PageEnd(b, first, 0, most);
    while i < count && |out| < most
      invariant first <= i <= count && out == Open(b, first, i)
      invariant PageEnd(b, i, |out|, most) == end
      decreases count - i
    {
      PageStep(b, first, i, out, most);
      var id := b.index[i];
      if id in b.records && !b.records[id].completed { out := out + [b.records[id]]; }
      i := i + 1;
    }
    return Page(out, i, count);
  }

  // ----- the whole list -----

  ghost predicate ById(rs: seq<Record>) {
    forall i, j :: 0 <= i < j < |rs| ==> rs[i].id <= rs[j].id
  }

  function Insert(r: Record, rs: seq<Record>): seq<Record> {
    if rs == [] || r.id < rs[0].id then [r] + rs else [rs[0]] + Insert(r, rs[1..])
  }

  /** A stable sort by identifier. */
  function Sorted(rs: seq<Record>): seq<Record> {
    if rs == [] then [] else Insert(rs[|rs| - 1], Sorted(rs[..|rs| - 1]))
  }

  lemma {:induction false} InsertOk(r: Record, rs: seq<Record>)
    requires ById(rs)
    ensures ById(Insert(r, rs)) && multiset(Insert(r, rs)) == multiset(rs) + multiset{r}
    decreases |rs|
  {
    if rs == [] || r.id < rs[0].id {
    } else {
      InsertOk(r, rs[1..]);
      assert rs == [rs[0]] + rs[1..];
      FirstStays(r, rs);
    }
  }

  lemma {:induction false} FirstStays(r: Record, rs: seq<Record>)
    requires ById(rs) && rs != [] && rs[0].id <= r.id && multiset(Insert(r, rs[1..])) == multiset(rs[1..]) + multiset{r}
    ensures forall j :: 0 <= j < |Insert(r, rs[1..])| ==> rs[0].id <= Insert(r, rs[1..])[j].id
  {
    var tail := Insert(r, rs[1..]);
    forall j | 0 <= j < |tail|
      ensures rs[0].id <= tail[j].id
    {
      assert tail[j] in multiset(tail);
    }
  }

  lemma {:induction false} SortedOk(rs: seq<Record>)
    ensures ById(Sorted(rs)) && multiset(Sorted(rs)) == multiset(rs)
    decreases |rs|
  {
    if rs != [] {
      SortedOk(rs[..|rs| - 1]);
      InsertOk(rs[|rs| - 1], Sorted(rs[..|rs| - 1]));
      assert rs == rs[..|rs| - 1] + [rs[|rs| - 1]];
    }
  }

  method ListPending(b: Bridge) returns (out: seq<Record>)
    ensures ById(out) && multiset(out) == multiset(Open(b, 0, |b.index|))
  {
    var open: seq<Record> := [];
    for i := 0 to |b.index|
      invariant open == Open(b, 0, i)
    {
      var id := b.index[i];
      if id in b.records && !b.records[id].completed {
        open := open + [b.records[id]];
      }
    }
    SortedOk(open);
    out := Sorted(open);
  }

  ghost predicate Distinct(rs: seq<Record>) {
    forall i, j :: 0 <= i < j < |rs| ==> rs[i].id != rs[j].id
  }

  /** Whatever the page size, the pages together hold exactly the open withdrawals, each once:
      the same as the whole list. */
  lemma {:induction false} PagesAreComplete(b: Bridge, limit: nat, r: Record)
    requires IndexOk(b)
    ensures r in Paged(b, 0, limit) <==> IsOpen(b, r)
    ensures Distinct(Paged(b, 0, limit))
    ensures multiset(Paged(b, 0, limit)) == multiset(Sorted(Open(b, 0, |b.index|)))
  {
    PagedIsOpen(b, 0, limit);
    OpenDistinct(b, |b.index|);
    OpenListed(b, |b.index|, r);
    assert b.index[..|b.index|] == b.index;
    SortedOk(Open(b, 0, |b.index|));
  }
}
