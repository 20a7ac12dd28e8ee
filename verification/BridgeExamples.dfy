/** Two runs of the bridge that go wrong in the ways the coverage theorems allow. */
module BridgeExamples {
  import opened Basics
  import opened Tokens
  import opened Bridges
  import opened BridgeBooks
  import opened BridgeRuns
  import opened BridgeCoverage

  /** An empty bridge, and four wrapped tokens in the hands of account 7. */
  function Start(): Bridge {
    Bridge(9, Ledger(map[200 := 4], map[(200, 7) := 4]), map[], map[], map[], map[], map[], {}, [], map[], {})
  }

  /** Canonical asset 5 with mint 100, and external asset 3 mapped to it with the same decimals. */
  function Setup(): seq<Op> {
    [RegisterOp(5, 6, 100), MapOp(3, 5, 6, 200)]
  }

  function Ready(): Bridge {
    Bridge(9, Ledger(map[200 := 4, 100 := 0], map[(200, 7) := 4]), map[5 := CanonicalAsset(6, 100, true)],
           map[3 := Mapping(5, 6, 6, true, true)], map[3 := Position(5, 0, 0, 0, 0, 0)], map[5 := Supply(0, 0, 0, 0)],
           map[5 := 0], {}, [], map[], {})
  }

  lemma {:induction false} RunStep(b: Bridge, op: Op, rest: seq<Op>, a: Bridge)
    requires Try(b, op) == Ok(a)
    ensures Run(b, [op] + rest) == Run(a, rest)
  {
    assert ([op] + rest)[1..] == rest;
  }

  lemma {:induction false} SetupIsReady(rest: seq<Op>)
    ensures Run(Start(), Setup() + rest) == Run(Ready(), rest)
  {
    var registered := Try(Start(), RegisterOp(5, 6, 100)).value;
    assert Try(registered, MapOp(3, 5, 6, 200)) == Ok(Ready());
    RunStep(registered, MapOp(3, 5, 6, 200), rest, Ready());
    assert Setup() + rest == [RegisterOp(5, 6, 100)] + ([MapOp(3, 5, 6, 200)] + rest);
    RunStep(Start(), RegisterOp(5, 6, 100), [MapOp(3, 5, 6, 200)] + rest, registered);
  }

  /** A wrapped withdrawal of the mapped asset leaves an open record with nothing pending for it. */
  lemma {:induction false} WrappedUncovers()
    ensures !Covered(Run(Start(), Setup() + [WrappedOp(Record(1, 3, 4, 7, 0, 0, false), 200, true)]))
  {
    var r := Record(1, 3, 4, 7, 0, 0, false);
    SetupIsReady([WrappedOp(r, 200, true)]);
    var a := Try(Ready(), WrappedOp(r, 200, true)).value;
    RunStep(Ready(), WrappedOp(r, 200, true), [], a);
    assert [WrappedOp(r, 200, true)] + [] == [WrappedOp(r, 200, true)];
    NothingCovers(a.records, 3, a.mappings[3]);
    assert a.records[1] == r;
  }

  // ----- an identifier used twice -----

  function Asked(): Op {
    RequestOp(Request(2, 7, 5, 4, 3, 0), 0, true, true)
  }

  function Done(): Op {
    CompleteOp(Completion(2, 3, 0, 4), true)
  }

  function Paid(): Op {
    DepositOp(Deposit(1, 3, 10, 7), 0, true, true)
  }

  /** A deposit of ten, and the same withdrawal of four requested and completed twice. */
  function Twice(): seq<Op> {
    [Paid(), Asked(), Done(), Asked(), Done()]
  }

  function Waiting(): Record {
    Record(2, 3, 4, 7, 0, 0, false)
  }

  /** Where the ten are: free, pending or withdrawn; what is not free was burnt by account 7. */
  ghost predicate At(b: Bridge, available: nat, pending: nat, withdrawn: nat) {
    && available + pending + withdrawn == 10 && b.authority == 9
    && 5 in b.canonicals && b.canonicals[5] == CanonicalAsset(6, 100, true)
    && 3 in b.mappings && b.mappings[3] == Mapping(5, 6, 6, true, true)
    && 3 in b.positions && b.positions[3] == Position(5, 10, withdrawn, pending, available, 0)
    && 5 in b.supplies && b.supplies[5] == Supply(10, 10 - available, available, 0)
    && 5 in b.backing && b.backing[5] == 10 - withdrawn
    && 100 in b.ledger.supply && b.ledger.supply[100] == 10 && BalanceOf(b.ledger, 100, 7) == available
    && BalanceOf(b.ledger, 100, 9) == 10 - available
  }

  lemma {:induction false} Deposited(ready: Bridge, op: Op) returns (a: Bridge)
    requires ready == Ready() && op == Paid()
    ensures Try(ready, op) == Ok(a) && At(a, 10, 0, 0)
  {
    a := Try(ready, op).value;
  }

  lemma {:induction false} AskedStep(b: Bridge, available: nat, pending: nat, withdrawn: nat) returns (a: Bridge)
    requires At(b, available, pending, withdrawn) && available >= 4
    ensures Try(b, Asked()) == Ok(a) && At(a, available - 4, pending + 4, withdrawn)
    ensures a.records == b.records[2 := Waiting()]
  {
    a := Try(b, Asked()).value;
  }

  lemma {:induction false} DoneStep(b: Bridge, available: nat, pending: nat, withdrawn: nat) returns (a: Bridge)
    requires At(b, available, pending, withdrawn) && pending >= 4 && 2 in b.records && b.records[2] == Waiting()
    ensures Try(b, Done()) == Ok(a) && At(a, available, pending - 4, withdrawn + 4)
  {
    a := Try(b, Done()).value;
  }

  lemma {:induction false} CountStep(b: Bridge, op: Op, rest: seq<Op>, a: Bridge)
    requires Try(b, op) == Ok(a)
    ensures Completed(b, [op] + rest, 2) == Count(op.CompleteOp? && op.done.id == 2) + Completed(a, rest, 2)
  {
    assert ([op] + rest)[1..] == rest;
  }

  lemma {:induction false} AskedCounts(b: Bridge, available: nat, withdrawn: nat, rest: seq<Op>) returns (a: Bridge)
    requires At(b, available, 0, withdrawn) && available >= 4
    ensures At(a, available - 4, 4, withdrawn) && 2 in a.records && a.records[2] == Waiting()
    ensures Completed(b, [Asked()] + rest, 2) == Completed(a, rest, 2)
  {
    a := AskedStep(b, available, 0, withdrawn);
    CountStep(b, Asked(), rest, a);
  }

  lemma {:induction false} DoneCounts(b: Bridge, available: nat, withdrawn: nat, rest: seq<Op>) returns (a: Bridge)
    requires At(b, available, 4, withdrawn) && 2 in b.records && b.records[2] == Waiting()
    ensures At(a, available, 0, withdrawn + 4) && Completed(b, [Done()] + rest, 2) == 1 + Completed(a, rest, 2)
  {
    a := DoneStep(b, available, 4, withdrawn);
    CountStep(b, Done(), rest, a);
  }

  /** One withdrawal, requested and completed. */
  lemma {:induction false} Round(b: Bridge, available: nat, withdrawn: nat, rest: seq<Op>) returns (a: Bridge)
    requires At(b, available, 0, withdrawn) && available >= 4
    ensures At(a, available - 4, 0, withdrawn + 4)
    ensures Completed(b, [Asked(), Done()] + rest, 2) == 1 + Completed(a, rest, 2)
  {
    var m := AskedCounts(b, available, withdrawn, [Done()] + rest);
    a := DoneCounts(m, available - 4, withdrawn, rest);
    assert [Asked(), Done()] + rest == [Asked()] + ([Done()] + rest);
  }

  lemma {:induction false} TwoRounds(b: Bridge, ops: seq<Op>)
    requires At(b, 10, 0, 0) && ops == [Asked(), Done(), Asked(), Done()]
    ensures Completed(b, ops, 2) == 2
  {
    var a := Round(b, 10, 0, [Asked(), Done()]);
    var z := Round(a, 6, 4, []);
    assert [Asked(), Done()] + [] == [Asked(), Done()];
    assert ops == [Asked(), Done()] + [Asked(), Done()];
  }

  lemma {:induction false} AfterDeposit(ready: Bridge, op: Op, rest: seq<Op>)
    requires ready == Ready() && op == Paid() && rest == [Asked(), Done(), Asked(), Done()]
    ensures Completed(ready, [op] + rest, 2) == 2
  {
    var b := Deposited(ready, op);
    AddsUp(ready, op, b, rest);
  }

  lemma {:induction false} AddsUp(ready: Bridge, op: Op, b: Bridge, rest: seq<Op>)
    requires Try(ready, op) == Ok(b) && !op.CompleteOp? && At(b, 10, 0, 0) && rest == [Asked(), Done(), Asked(), Done()]
    ensures Completed(ready, [op] + rest, 2) == 2
  {
    TwoRounds(b, rest);
    CountStep(ready, op, rest, b);
  }

  lemma {:induction false} SetupCounts(start: Bridge, op1: Op, op2: Op, ready: Bridge, rest: seq<Op>)
    requires start == Start() && ready == Ready() && op1 == RegisterOp(5, 6, 100) && op2 == MapOp(3, 5, 6, 200)
    ensures Completed(start, [op1] + ([op2] + rest), 2) == Completed(ready, rest, 2)
  {
    var registered := Try(start, op1).value;
    assert Try(registered, op2) == Ok(ready);
    CountStep(registered, op2, rest, ready);
    CountStep(start, op1, [op2] + rest, registered);
  }

  lemma {:induction false} AllTogether(start: Bridge, op1: Op, op2: Op, ready: Bridge, op: Op, rest: seq<Op>)
    requires start == Start() && ready == Ready() && op1 == RegisterOp(5, 6, 100) && op2 == MapOp(3, 5, 6, 200)
    requires op == Paid() && rest == [Asked(), Done(), Asked(), Done()]
    ensures Completed(start, [op1] + ([op2] + ([op] + rest)), 2) == 2
  {
    AfterDeposit(ready, op, rest);
    SetupCounts(start, op1, op2, ready, [op] + rest);
  }

  lemma {:induction false} StartOk()
    ensures BooksOk(Start()) && Covered(Start())
  {
  }

  /** From the empty bridge, the same withdrawal goes through twice. */
  lemma {:induction false} IdentifierCompletesTwice(start: Bridge, ops: seq<Op>)
    requires start == Start() && ops == Setup() + Twice()
    ensures Completed(start, ops, 2) == 2
  {
    var rest := [Asked(), Done(), Asked(), Done()];
    assert ops == [ops[0]] + ([ops[1]] + ([ops[2]] + rest));
    AllTogether(start, ops[0], ops[1], Ready(), ops[2], rest);
  }

  /** If the authority gave back what was burnt, more would circulate than is backed. */
  lemma {:induction false} SpentBurnIsUnbacked(b: Bridge)
    requires At(b, 6, 0, 4)
    ensures Try(b, OutsideOp(100, 9, 7, 4)).Ok?
    ensures var a := Try(b, OutsideOp(100, 9, 7, 4)).value;
      && 100 in a.ledger.supply && 5 in a.backing
      && a.ledger.supply[100] - BalanceOf(a.ledger, 100, 9) > a.backing[5]
  {
    TransferEffect(b.ledger, 100, 9, 7, 4, 100, 9);
  }
}
